/** The pairing table `activePairs`: a map from a session to its partner,
    written two entries at a time when a match is made and cleared two
    entries at a time when a session disconnects. Nothing removes an old
    link before a new one is written, so the table is symmetric only as
    long as no paired session asks for a new partner (see
    `RelinkLeavesStaleEntry`). */
module Pairing {
  import opened Matching

  /** No session is its own partner. */
  predicate NoSelfPairs(pairs: map<SessionId, SessionId>)
  {
    forall s :: s in pairs ==> pairs[s] != s
  }

  /** Every entry has its reverse entry. */
  predicate Symmetric(pairs: map<SessionId, SessionId>)
  {
    forall s :: s in pairs ==> pairs[s] in pairs && pairs[pairs[s]] == s
  }

  /** `activePairs.set(a, b); activePairs.set(b, a)` */
  function Link(pairs: map<SessionId, SessionId>, a: SessionId, b: SessionId): (r: map<SessionId, SessionId>)
    ensures r.Keys == pairs.Keys + {a, b}
    ensures a != b ==> r[a] == b && r[b] == a
    ensures forall k :: k in pairs && k != a && k != b ==> r[k] == pairs[k]
  {
    pairs[a := b][b := a]
  }

  /** The cleanup of `s`'s pairing on disconnect: when `s` has a partner
      `p`, both `activePairs.delete(p)` and `activePairs.delete(s)`;
      otherwise nothing. */
  function Unlink(pairs: map<SessionId, SessionId>, s: SessionId): (r: map<SessionId, SessionId>)
    ensures s !in r
    ensures s in pairs ==> pairs[s] !in r
    ensures r.Keys <= pairs.Keys
    ensures forall k :: k in pairs && k != s && (s in pairs ==> k != pairs[s]) ==> k in r && r[k] == pairs[k]
  {
    if s in pairs then pairs - {pairs[s], s} else pairs
  }

  /** Linking two different sessions never pairs a session with itself. */
  lemma LinkKeepsNoSelfPairs(pairs: map<SessionId, SessionId>, a: SessionId, b: SessionId)
    requires NoSelfPairs(pairs) && a != b
    ensures NoSelfPairs(Link(pairs, a, b))
  {
  }

  /** Unlinking only deletes, so it never pairs a session with itself. */
  lemma UnlinkKeepsNoSelfPairs(pairs: map<SessionId, SessionId>, s: SessionId)
    requires NoSelfPairs(pairs)
    ensures NoSelfPairs(Unlink(pairs, s))
  {
  }

  /** The freshly written pair is symmetric, and the table stays symmetric
      when neither side had a partner before. */
  lemma LinkUnpairedKeepsSymmetric(pairs: map<SessionId, SessionId>, a: SessionId, b: SessionId)
    requires Symmetric(pairs) && a != b && a !in pairs && b !in pairs
    ensures Symmetric(Link(pairs, a, b))
  {
  }

  /** Unlinking a session keeps a symmetric table symmetric. */
  lemma UnlinkKeepsSymmetric(pairs: map<SessionId, SessionId>, s: SessionId)
    requires Symmetric(pairs)
    ensures Symmetric(Unlink(pairs, s))
  {
  }

  /** Re-pairing a session that already has a partner (a `find_partner`
      sent while paired) leaves the old partner pointing at it: after
      {a <-> b}, linking a with c gives a -> c and c -> a but still b -> a. */
  lemma RelinkLeavesStaleEntry()
    ensures var before := map["a" := "b", "b" := "a"];
            var after := Link(before, "a", "c");
            Symmetric(before) && !Symmetric(after) && after["b"] == "a" && after["a"] == "c"
  {
  }
}
