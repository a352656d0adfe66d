/** The waiting queue and the matching engine of the signaling server:
    the per-session match filters, the gender and interest compatibility
    test, the choice of the queue entry a `find_partner` caller is paired
    with, and the queue operations (removal at an index, removal of every
    entry of a session). */
module Matching {

  datatype Option<T> = None | Some(value: T)

  /** Server-assigned socket identifier. */
  type SessionId = string

  /** The filters a session declared with `set_preferences`.
      `gender == ""` stands for a missing or empty gender (falsy in the
      server) and `interests == []` for a missing or empty interest list;
      the server treats both the same way. */
  datatype Preferences = Preferences(gender: string, interests: seq<string>)

  /** A queue entry: the session id and the preferences spread into the
      entry when it was enqueued. The snapshot is stored but never read by
      the matching engine, which looks the live preferences up instead. */
  datatype WaitingEntry = WaitingEntry(id: SessionId, snapshot: Option<Preferences>)

  /** `userPreferences.get(id)` */
  function Lookup(live: map<SessionId, Preferences>, id: SessionId): (r: Option<Preferences>)
    ensures r.Some? <==> id in live
    ensures r.Some? ==> r.value == live[id]
  {
    if id in live then Some(live[id]) else None
  }

  /** The two interest lists have an element in common. */
  predicate SharesInterest(mine: seq<string>, theirs: seq<string>)
    ensures mine == [] || theirs == [] ==> !SharesInterest(mine, theirs)
  {
    exists x :: x in mine && x in theirs
  }

  /** `mine.some(x => theirs.includes(x))` by positions: some element of
      `mine` equals some element of `theirs`. */
  lemma SharesInterestAtIndices(mine: seq<string>, theirs: seq<string>)
    ensures SharesInterest(mine, theirs) <==>
      exists i, j :: 0 <= i < |mine| && 0 <= j < |theirs| && mine[i] == theirs[j]
  {
    if SharesInterest(mine, theirs) {
      var x :| x in mine && x in theirs;
      var i :| 0 <= i < |mine| && mine[i] == x;
      var j :| 0 <= j < |theirs| && theirs[j] == x;
      assert mine[i] == theirs[j];
    }
    if exists i, j :: 0 <= i < |mine| && 0 <= j < |theirs| && mine[i] == theirs[j] {
      var i, j :| 0 <= i < |mine| && 0 <= j < |theirs| && mine[i] == theirs[j];
      assert mine[i] in mine && mine[i] in theirs;
    }
  }

  /** The gender test skips a candidate only when both genders are set,
      neither is "any", and they differ. */
  predicate GenderClash(caller: Preferences, other: Option<Preferences>)
    ensures GenderClash(caller, other) ==> other.Some? && caller.gender != other.value.gender
    ensures caller.gender in {"", "any"} || other.None? ==> !GenderClash(caller, other)
    ensures other.Some? && other.value.gender in {"", "any"} ==> !GenderClash(caller, other)
  {
    && caller.gender != ""
    && other.Some? && other.value.gender != ""
    && caller.gender != "any" && other.value.gender != "any"
    && caller.gender != other.value.gender
  }

  /** The interest test skips a candidate only when both lists are
      non-empty and have nothing in common. */
  predicate InterestClash(caller: Preferences, other: Option<Preferences>)
    ensures InterestClash(caller, other) ==> other.Some? && caller.interests != [] && other.value.interests != []
    ensures caller.interests == [] || other.None? ==> !InterestClash(caller, other)
    ensures InterestClash(caller, other) ==> forall x :: x in caller.interests ==> x !in other.value.interests
  {
    && |caller.interests| > 0
    && other.Some? && |other.value.interests| > 0
    && !SharesInterest(caller.interests, other.value.interests)
  }

  /** A candidate whose live preferences are `other` passes both tests:
      a candidate without preferences always passes, and one that passes
      with both genders set and neither "any" has the caller's gender. */
  predicate Compatible(caller: Preferences, other: Option<Preferences>)
    ensures other.None? ==> Compatible(caller, other)
    ensures Compatible(caller, other) && other.Some? && caller.gender !in {"", "any"} && other.value.gender !in {"", "any"} ==>
      caller.gender == other.value.gender
  {
    !GenderClash(caller, other) && !InterestClash(caller, other)
  }

  /** Queue entry `e` passes both tests against the caller, judged by the
      entry's live preferences in `live` (`userPreferences.get`); a session
      with no stored preferences fits. */
  predicate Fits(caller: Preferences, live: map<SessionId, Preferences>, e: WaitingEntry)
    ensures e.id !in live ==> Fits(caller, live, e)
    ensures e.id in live ==> (Fits(caller, live, e) <==> Compatible(caller, Some(live[e.id])))
  {
    Compatible(caller, Lookup(live, e.id))
  }

  /** Only the session id of a queue entry matters to the tests: two
      entries of the same session fit alike, whatever their snapshots. */
  lemma FitsIgnoresSnapshot(caller: Preferences, live: map<SessionId, Preferences>, id: SessionId, s1: Option<Preferences>, s2: Option<Preferences>)
    ensures Fits(caller, live, WaitingEntry(id, s1)) <==> Fits(caller, live, WaitingEntry(id, s2))
  {
  }

  /** Compatibility stated positively: either side's gender is unset or
      "any", or both are equal; and either side has no interests, or the
      two lists intersect. */
  lemma CompatibleMeaning(caller: Preferences, other: Preferences)
    ensures Compatible(caller, Some(other)) <==>
      && (caller.gender in {"", "any"} || other.gender in {"", "any"} || caller.gender == other.gender)
      && (caller.interests == [] || other.interests == [] || SharesInterest(caller.interests, other.interests))
  {
  }

  /** A candidate without stored preferences is compatible with everyone. */
  lemma NoPreferencesAlwaysFits(caller: Preferences)
    ensures Compatible(caller, None)
  {
  }

  /** The scan of the queue from index `i` on: the first entry that fits. */
  function FirstFitFrom(q: seq<WaitingEntry>, live: map<SessionId, Preferences>, caller: Preferences, i: nat): (r: Option<nat>)
    requires i <= |q|
    decreases |q| - i
    ensures r.Some? ==>
      && i <= r.value < |q|
      && Fits(caller, live, q[r.value])
      && forall k :: i <= k < r.value ==> !Fits(caller, live, q[k])
    ensures r.None? ==> forall k :: i <= k < |q| ==> !Fits(caller, live, q[k])
  {
    if i == |q| then None
    else if Fits(caller, live, q[i]) then Some(i)
    else FirstFitFrom(q, live, caller, i + 1)
  }

  /** The index of the entry `findMatch` takes out of the queue `q`, for a
      caller whose own stored preferences are `caller`; `None` when the
      queue is empty. */
  function MatchIndex(q: seq<WaitingEntry>, live: map<SessionId, Preferences>, caller: Option<Preferences>): (r: Option<nat>)
    ensures r.None? <==> |q| == 0
    ensures r.Some? ==> r.value < |q|
    ensures r.Some? && (caller.None? || caller.value.gender == "") ==> r.value == 0
    ensures r.Some? && caller.Some? && caller.value.gender != "" ==>
      || (Fits(caller.value, live, q[r.value]) && forall k :: 0 <= k < r.value ==> !Fits(caller.value, live, q[k]))
      || (r.value == 0 && forall k :: 0 <= k < |q| ==> !Fits(caller.value, live, q[k]))
  {
    if |q| == 0 then None
    else if caller.None? || caller.value.gender == "" then Some(0)
    else match FirstFitFrom(q, live, caller.value, 0)
      case Some(i) => Some(i)
      case None => Some(0)
  }

  /** When some entry fits a caller with a gender, the lowest-index fitting
      entry is chosen. */
  lemma MatchIndexIsFirstFit(q: seq<WaitingEntry>, live: map<SessionId, Preferences>, caller: Preferences, i: nat)
    requires caller.gender != ""
    requires i < |q| && Fits(caller, live, q[i])
    requires forall k :: 0 <= k < i ==> !Fits(caller, live, q[k])
    ensures MatchIndex(q, live, Some(caller)) == Some(i)
  {
  }

  /** When nothing fits, the queue head is taken: a non-empty queue never
      leaves the caller waiting because of its filters. */
  lemma MatchIndexFallsBackToHead(q: seq<WaitingEntry>, live: map<SessionId, Preferences>, caller: Preferences)
    requires |q| > 0
    requires forall k :: 0 <= k < |q| ==> !Fits(caller, live, q[k])
    ensures MatchIndex(q, live, Some(caller)) == Some(0)
  {
  }

  /** On a queue of at most one entry the caller's filters decide nothing:
      every caller gets the same index, the head if there is one. */
  lemma MatchIndexIgnoresFiltersOnShortQueue(q: seq<WaitingEntry>, live: map<SessionId, Preferences>, c1: Option<Preferences>, c2: Option<Preferences>)
    requires |q| <= 1
    ensures MatchIndex(q, live, c1) == MatchIndex(q, live, c2)
    ensures |q| == 1 ==> MatchIndex(q, live, c1) == Some(0)
  {
  }

  /** A queue holding one session whose filters are female/music. A
      male/music caller clashes with it on gender, so it is not a fit, yet
      it is still taken as the fallback head; a caller with filter "any"
      and a common interest takes it as a fit. */
  lemma OneWaitingFemaleMusic()
    ensures var u1 := WaitingEntry("u1", None);
      var live := map["u1" := Preferences("female", ["music"])];
      && !Fits(Preferences("male", ["music"]), live, u1)
      && MatchIndex([u1], live, Some(Preferences("male", ["music"]))) == Some(0)
      && !Fits(Preferences("male", ["sports"]), live, u1)
      && MatchIndex([u1], live, Some(Preferences("male", ["sports"]))) == Some(0)
      && Fits(Preferences("any", ["music", "art"]), live, u1)
  {
    assert "music" in ["music", "art"] && "music" in ["music"];
  }

  /** `splice(i, 1)` (and `shift()` for `i == 0`): the queue without the
      entry at index `i`, every other entry kept in order. */
  function RemoveAt<T>(q: seq<T>, i: nat): (r: seq<T>)
    requires i < |q|
    ensures |r| == |q| - 1
    ensures forall k :: 0 <= k < i ==> r[k] == q[k]
    ensures forall k :: i <= k < |r| ==> r[k] == q[k + 1]
  {
    q[..i] + q[i + 1..]
  }

  /** Removing one entry loses exactly that entry. */
  lemma RemoveAtMultiset<T>(q: seq<T>, i: nat)
    requires i < |q|
    ensures multiset(q) == multiset(RemoveAt(q, i)) + multiset{q[i]}
  {
    assert q == q[..i] + [q[i]] + q[i + 1..];
  }

  /** `shift()` removes the head. */
  lemma RemoveHead<T>(q: seq<T>)
    requires |q| > 0
    ensures RemoveAt(q, 0) == q[1..]
  {
    assert q[..0] == [];
  }

  /** `waitingUsers.some(u => u.socketId === s)` */
  predicate IsQueued(q: seq<WaitingEntry>, s: SessionId)
    ensures IsQueued(q, s) <==> exists i :: 0 <= i < |q| && q[i].id == s
    ensures q == [] ==> !IsQueued(q, s)
  {
    exists e :: e in q && e.id == s
  }

  /** No session has two entries in the queue. */
  predicate DistinctIds(q: seq<WaitingEntry>)
  {
    forall i, j :: 0 <= i < j < |q| ==> q[i].id != q[j].id
  }

  /** `waitingUsers.filter(u => u.socketId !== s)` */
  function WithoutSession(q: seq<WaitingEntry>, s: SessionId): (r: seq<WaitingEntry>)
    ensures |r| <= |q|
    ensures forall e :: e in r <==> e in q && e.id != s
  {
    if q == [] then []
    else (if q[0].id == s then [] else [q[0]]) + WithoutSession(q[1..], s)
  }

  /** The filter works entry by entry, so it keeps the order of the
      entries it keeps: filtering a concatenation filters each part. */
  lemma {:induction false} WithoutSessionAppend(a: seq<WaitingEntry>, b: seq<WaitingEntry>, s: SessionId)
    ensures WithoutSession(a + b, s) == WithoutSession(a, s) + WithoutSession(b, s)
  {
    if a == [] {
      assert a + b == b;
    } else {
      assert (a + b)[1..] == a[1..] + b;
      WithoutSessionAppend(a[1..], b, s);
    }
  }

  /** Filtering a queue in which `s` has no entry changes nothing. */
  lemma {:induction false} WithoutSessionAbsent(q: seq<WaitingEntry>, s: SessionId)
    requires !IsQueued(q, s)
    ensures WithoutSession(q, s) == q
  {
    if q != [] {
      assert q[0] in q;
      assert !IsQueued(q[1..], s) by {
        forall e | e in q[1..] ensures e.id != s {
          assert e in q;
        }
      }
      WithoutSessionAbsent(q[1..], s);
      assert [q[0]] + q[1..] == q;
    }
  }

  /** Taking one entry out keeps the ids distinct, and the removed
      session is no longer queued. */
  lemma RemoveAtKeepsDistinct(q: seq<WaitingEntry>, i: nat)
    requires i < |q| && DistinctIds(q)
    ensures DistinctIds(RemoveAt(q, i))
    ensures !IsQueued(RemoveAt(q, i), q[i].id)
  {
  }

  /** Appending a session that is not queued keeps the ids distinct. */
  lemma AppendKeepsDistinct(q: seq<WaitingEntry>, e: WaitingEntry)
    requires DistinctIds(q) && !IsQueued(q, e.id)
    ensures DistinctIds(q + [e])
  {
  }

  /** The filter keeps the ids distinct. */
  lemma {:induction false} WithoutSessionKeepsDistinct(q: seq<WaitingEntry>, s: SessionId)
    requires DistinctIds(q)
    ensures DistinctIds(WithoutSession(q, s))
  {
    if q != [] {
      var t := q[1..];
      assert DistinctIds(t) by {
        forall a, b | 0 <= a < b < |t| ensures t[a].id != t[b].id {
          assert t[a] == q[a + 1] && t[b] == q[b + 1];
        }
      }
      WithoutSessionKeepsDistinct(t, s);
      var rt := WithoutSession(t, s);
      if q[0].id != s {
        var r := [q[0]] + rt;
        forall a, b | 0 <= a < b < |r| ensures r[a].id != r[b].id {
          if a == 0 {
            assert r[b] in t;
            var k :| 0 <= k < |t| && t[k] == r[b];
            assert q[k + 1] == r[b];
          } else {
            assert r[a] == rt[a - 1] && r[b] == rt[b - 1];
          }
        }
      }
    }
  }
}
