/** Message deduplication by a ring of the last identifiers and a set (pkg/channels/onebot.go:100-112, 936-956). */
module DedupRing {

  const DEDUP_SIZE := 1024

  predicate Counts(id: string) {
    id != "" && id != "0"
  }

  /** The last `n` elements, or all of them. */
  function LastOf(s: seq<string>, n: nat): seq<string> {
    if |s| <= n then s else s[|s| - n..]
  }

  /** The identifiers accepted so far: those that count and were not among the last 1024 accepted ones. */
  function Accepted(ids: seq<string>): seq<string> {
    if ids == [] then []
    else
      var before, id := Accepted(ids[..|ids| - 1]), ids[|ids| - 1];
      if Counts(id) && id !in LastOf(before, DEDUP_SIZE) then before + [id] else before
  }

  ghost predicate Distinct(s: seq<string>) {
    forall i, j :: 0 <= i < j < |s| ==> s[i] != s[j]
  }

  /** `ring` holds the last accepted identifiers in cyclic order; slots never written are empty. */
  ghost predicate Holds(ring: seq<string>, accepted: seq<string>) {
    && |ring| == DEDUP_SIZE
    && (forall i :: 0 <= i < |accepted| && |accepted| - DEDUP_SIZE <= i ==> ring[i % DEDUP_SIZE] == accepted[i])
    && (forall k :: |accepted| <= k < DEDUP_SIZE ==> ring[k] == "")
  }

  ghost predicate AllCount(s: seq<string>) {
    forall i :: 0 <= i < |s| ==> Counts(s[i])
  }

  /** `seen` is the set of the last accepted identifiers, which are pairwise distinct. */
  ghost predicate Indexes(seen: set<string>, accepted: seq<string>) {
    Distinct(LastOf(accepted, DEDUP_SIZE)) && forall id :: id in seen <==> id in LastOf(accepted, DEDUP_SIZE)
  }

  class OneBotChannel {
    var dedup: set<string>
    const dedupRing: array<string>
    var dedupIdx: nat
    /** Everything accepted so far, oldest first. */
    ghost var accepted: seq<string>

    ghost predicate Valid()
      reads this, dedupRing
    {
      && dedupRing.Length == DEDUP_SIZE && dedupIdx == |accepted| % DEDUP_SIZE
      && AllCount(accepted) && Holds(dedupRing[..], accepted) && Indexes(dedup, accepted)
    }

    constructor ()
      ensures Valid() && accepted == [] && fresh(dedupRing)
    {
      dedup, dedupIdx, accepted := {}, 0, [];
      dedupRing := new string[DEDUP_SIZE](_ => "");
    }

    method IsDuplicate(messageID: string) returns (duplicate: bool)
      requires Valid()
      modifies this, dedupRing
      ensures Valid()
      ensures duplicate <==> Recent(old(accepted), messageID)
      ensures accepted ==
                if messageID == "" || messageID == "0" || duplicate then old(accepted) else old(accepted) + [messageID]
      ensures forall ids :: old(accepted) == Accepted(ids) ==> accepted == Accepted(ids + [messageID])
    {
      hide Accepted, AllCount, Holds, Indexes, LastOf, Recent;
      AcceptedSteps(accepted, messageID);
      KnownAreIndexed(dedup, accepted, messageID);
      if messageID == "" || messageID == "0" {
        return false;
      }
      if messageID in dedup {
        return true;
      }
      SlotToOverwrite(dedupRing[..], accepted);
      var oldest := dedupRing[dedupIdx];
      OneMoreIndexed(dedup, accepted, messageID);
      OneMoreHeld(dedupRing[..], accepted, messageID);
      if oldest != "" {
        dedup := dedup - {oldest};
      }
      dedupRing[dedupIdx] := messageID;
      dedup := dedup + {messageID};
      dedupIdx := (dedupIdx + 1) % dedupRing.Length;
      accepted := accepted + [messageID];
      return false;
    }
  }

  /** One of the last 1024 is `id`. */
  ghost predicate Recent(s: seq<string>, id: string) {
    exists i :: |s| - 1024 <= i < |s| && i >= 0 && s[i] == id
  }

  lemma RecentAreLast(s: seq<string>, id: string)
    ensures Recent(s, id) <==> id in LastOf(s, DEDUP_SIZE)
  {
    var w := LastOf(s, DEDUP_SIZE);
    assert forall k :: 0 <= k < |w| ==> w[k] == s[|s| - |w| + k];
    if i :| |s| - 1024 <= i < |s| && i >= 0 && s[i] == id {
      assert w[i - |s| + |w|] == id;
    }
  }

  /** What is known is in the set, and whatever does not count is not known. */
  lemma KnownAreIndexed(seen: set<string>, accepted: seq<string>, id: string)
    requires Indexes(seen, accepted) && AllCount(accepted)
    ensures id in seen <==> id in LastOf(accepted, DEDUP_SIZE)
    ensures id in seen <==> Recent(accepted, id)
    ensures id in seen ==> Counts(id)
    ensures Counts(id) <==> id != "" && id != "0"
    ensures Counts(id) ==> AllCount(accepted + [id])
  {
    RecentAreLast(accepted, id);
  }

  lemma AcceptedSteps(accepted: seq<string>, id: string)
    ensures forall ids :: accepted == Accepted(ids) ==>
              Accepted(ids + [id]) ==
                if Counts(id) && id !in LastOf(accepted, DEDUP_SIZE) then accepted + [id] else accepted
  {
    forall ids | accepted == Accepted(ids)
      ensures Accepted(ids + [id]) ==
                if Counts(id) && id !in LastOf(accepted, DEDUP_SIZE) then accepted + [id] else accepted
    {
      AcceptedStep(ids, id);
    }
  }

  /** The slot to be overwritten is empty, or holds the oldest identifier of a full window. */
  lemma SlotToOverwrite(ring: seq<string>, accepted: seq<string>)
    requires Holds(ring, accepted) && AllCount(accepted)
    ensures |ring| == DEDUP_SIZE
    ensures ring[|accepted| % DEDUP_SIZE] ==
              if |accepted| < DEDUP_SIZE then "" else accepted[|accepted| - DEDUP_SIZE]
    ensures |accepted| >= DEDUP_SIZE ==> accepted[|accepted| - DEDUP_SIZE] != ""
  {
    var n := |accepted|;
    if n >= DEDUP_SIZE {
      assert (n - DEDUP_SIZE) % DEDUP_SIZE == n % DEDUP_SIZE;
      assert Counts(accepted[n - DEDUP_SIZE]);
    }
  }

  lemma OneMoreHeld(ring: seq<string>, accepted: seq<string>, id: string)
    requires Holds(ring, accepted)
    ensures |ring| == DEDUP_SIZE && Holds(ring[|accepted| % DEDUP_SIZE := id], accepted + [id])
  {
    var n, r, a := |accepted|, ring[|accepted| % DEDUP_SIZE := id], accepted + [id];
    forall i | 0 <= i < |a| && |a| - DEDUP_SIZE <= i ensures r[i % DEDUP_SIZE] == a[i] {
      if i < n {
        assert i % DEDUP_SIZE != n % DEDUP_SIZE;
      }
    }
  }

  /** The window moves on by one: the new identifier comes in, and the oldest of a full window goes. */
  lemma WindowMoves(accepted: seq<string>, id: string)
    ensures var w := LastOf(accepted, DEDUP_SIZE);
            LastOf(accepted + [id], DEDUP_SIZE) == (if |accepted| < DEDUP_SIZE then w else w[1..]) + [id]
    ensures |accepted| >= DEDUP_SIZE ==> LastOf(accepted, DEDUP_SIZE)[0] == accepted[|accepted| - DEDUP_SIZE]
  {
  }

  lemma OneMoreIndexed(seen: set<string>, accepted: seq<string>, id: string)
    requires Indexes(seen, accepted) && id !in LastOf(accepted, DEDUP_SIZE)
    ensures |accepted| < DEDUP_SIZE ==> Indexes(seen + {id}, accepted + [id])
    ensures |accepted| >= DEDUP_SIZE ==> Indexes(seen - {accepted[|accepted| - DEDUP_SIZE]} + {id}, accepted + [id])
  {
    var w := LastOf(accepted, DEDUP_SIZE);
    WindowMoves(accepted, id);
    if |accepted| >= DEDUP_SIZE {
      assert w == [w[0]] + w[1..];
    }
  }

  /** One more call: an identifier is accepted when it counts and is new. */
  lemma AcceptedStep(ids: seq<string>, id: string)
    ensures Accepted(ids + [id]) == if Counts(id) && id !in LastOf(Accepted(ids), DEDUP_SIZE) then Accepted(ids) + [id]
                                    else Accepted(ids)
  {
    assert (ids + [id])[..|ids|] == ids;
  }

  /** An identifier stays known exactly until 1024 others have been accepted after it. */
  lemma KnownUntilFull(a: seq<string>, id: string, b: seq<string>)
    requires id !in b
    ensures Recent(a + [id] + b, id) <==> |b| < 1024
  {
    var s := a + [id] + b;
    assert s[|a|] == id;
    assert forall i :: |a| < i < |s| ==> s[i] == b[i - |a| - 1];
  }

  /** Whatever the calls, the accepted identifiers count, and any 1024 in a row are pairwise distinct. */
  lemma {:induction false} AcceptedWindowsDistinct(ids: seq<string>)
    ensures AllCount(Accepted(ids)) && Distinct(LastOf(Accepted(ids), DEDUP_SIZE))
  {
    if ids != [] {
      AcceptedWindowsDistinct(ids[..|ids| - 1]);
      var before, id := Accepted(ids[..|ids| - 1]), ids[|ids| - 1];
      WindowMoves(before, id);
    }
  }
}
