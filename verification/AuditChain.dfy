/**
 The hash-chained audit log: row hashes, the chain verifier and the in-memory sink.  The digest is any
 function on texts with 32-byte results, so results that rest on collision resistance name the collision
 instead of assuming there is none.
 */
module AuditChain {
  import opened AuditPayload
  import opened Options

  type Digest = string -> string

  datatype Record = Record(id: int, at: int, event: Event, prevHash: Option<string>, rowHash: string)

  /** The bytes fed to the digest for one row (`hash_row`). */
  function HashInput(r: Record): string {
    (match r.prevHash case Some(h) => h case None => "") + CanonicalPayload(r.event)
  }

  function PrevOf(log: seq<Record>, i: nat): Option<string>
    requires i <= |log|
  {
    if i == 0 then None else Some(log[i - 1].rowHash)
  }

  /** Row `i` links to its predecessor and carries its own digest. */
  predicate RowOk(hash: Digest, log: seq<Record>, i: nat)
    requires i < |log|
  {
    log[i].prevHash == PrevOf(log, i) && log[i].rowHash == hash(HashInput(log[i]))
  }

  predicate ChainOk(hash: Digest, log: seq<Record>) {
    forall i :: 0 <= i < |log| ==> RowOk(hash, log, i)
  }

  datatype Outcome =
    | Verified
    | ChainBroken(id: int, expected: Option<string>, found: Option<string>)
    | HashMismatch(id: int, stored: string, recomputed: string)

  /** What a verifier must report when `k` is the first bad row. */
  ghost predicate Reports(hash: Digest, log: seq<Record>, k: nat, o: Outcome)
    requires k < |log|
  {
    if log[k].prevHash != PrevOf(log, k)
    then o == ChainBroken(log[k].id, PrevOf(log, k), log[k].prevHash)
    else o == HashMismatch(log[k].id, log[k].rowHash, hash(HashInput(log[k])))
  }

  /** The loop of `verify_chain`: accepts exactly the sound chains, and otherwise reports the first bad row. */
  method VerifyChain(hash: Digest, log: seq<Record>) returns (o: Outcome)
    ensures o == Verified <==> ChainOk(hash, log)
    ensures o != Verified ==>
      exists k :: 0 <= k < |log| && !RowOk(hash, log, k) && (forall i :: 0 <= i < k ==> RowOk(hash, log, i))
                  && Reports(hash, log, k, o)
  {
    var expectedPrev: Option<string> := None;
    for i := 0 to |log|
      invariant expectedPrev == PrevOf(log, i)
      invariant forall k :: 0 <= k < i ==> RowOk(hash, log, k)
    {
      var r := log[i];
      if r.prevHash != expectedPrev {
        assert !RowOk(hash, log, i) && Reports(hash, log, i, ChainBroken(r.id, expectedPrev, r.prevHash));
        return ChainBroken(r.id, expectedPrev, r.prevHash);
      }
      var recomputed := hash(HashInput(r));
      if recomputed != r.rowHash {
        assert !RowOk(hash, log, i) && Reports(hash, log, i, HashMismatch(r.id, r.rowHash, recomputed));
        return HashMismatch(r.id, r.rowHash, recomputed);
      }
      expectedPrev := Some(r.rowHash);
    }
    return Verified;
  }

  /** Row `i` of one log and row `d + i` of the other are two different inputs with one digest. */
  predicate CollisionAt(hash: Digest, a: seq<Record>, b: seq<Record>, d: nat, i: nat)
    requires i < |a| && d + i < |b|
  {
    HashInput(a[i]) != HashInput(b[d + i]) && hash(HashInput(a[i])) == hash(HashInput(b[d + i]))
  }

  predicate SameLinks(r: Record, s: Record) { r.event == s.event && r.prevHash == s.prevHash && r.rowHash == s.rowHash }

  ghost predicate CleanLog(log: seq<Record>) { forall i :: 0 <= i < |log| ==> CleanEvent(log[i].event) }

  /** Equal digests in rows with predecessors mean equal rows, and so equal digests one row earlier. */
  lemma RowAgrees(hash: Digest, a: seq<Record>, b: seq<Record>, d: nat, i: nat)
    requires forall s :: |hash(s)| == 32
    requires ChainOk(hash, a) && ChainOk(hash, b) && 0 < i < |a| && d + i < |b|
    requires CleanEvent(a[i].event) && CleanEvent(b[d + i].event)
    requires a[i].rowHash == b[d + i].rowHash && !CollisionAt(hash, a, b, d, i)
    ensures SameLinks(a[i], b[d + i]) && a[i - 1].rowHash == b[d + i - 1].rowHash
  {
    hide CanonicalPayload, CleanEvent;
    assert RowOk(hash, a, i) && RowOk(hash, b, d + i);
    assert RowOk(hash, a, i - 1) && RowOk(hash, b, d + i - 1);
    Cancel(a[i - 1].rowHash, b[d + i - 1].rowHash, CanonicalPayload(a[i].event), CanonicalPayload(b[d + i].event));
    PayloadInjective(a[i].event, b[d + i].event);
  }

  lemma {:induction false} RowsAgree(hash: Digest, a: seq<Record>, b: seq<Record>, d: nat, n: nat)
    requires forall s :: |hash(s)| == 32
    requires ChainOk(hash, a) && ChainOk(hash, b) && n < |a| && d + n < |b|
    requires CleanLog(a) && CleanLog(b)
    requires a[n].rowHash == b[d + n].rowHash
    requires forall i :: 0 <= i <= n ==> !CollisionAt(hash, a, b, d, i)
    ensures a[0].rowHash == b[d].rowHash
    ensures forall i :: 0 < i <= n ==> SameLinks(a[i], b[d + i])
  {
    hide CleanEvent, CollisionAt;
    if n > 0 {
      RowAgrees(hash, a, b, d, n);
      RowsAgree(hash, a, b, d, n - 1);
    }
  }

  /** The first row of one log hashes the same bytes as a later row of the other behind its predecessor's hash. */
  predicate Grafted(b: seq<Record>, d: nat, first: Event)
    requires 0 < d < |b|
  {
    CanonicalPayload(first) == b[d - 1].rowHash + CanonicalPayload(b[d].event)
  }

  lemma FirstRowAgrees(hash: Digest, a: seq<Record>, b: seq<Record>, d: nat)
    requires ChainOk(hash, a) && ChainOk(hash, b) && a != [] && d < |b|
    requires CleanEvent(a[0].event) && CleanEvent(b[d].event)
    requires a[0].rowHash == b[d].rowHash && !CollisionAt(hash, a, b, d, 0)
    ensures if d == 0 then SameLinks(a[0], b[0]) else Grafted(b, d, a[0].event)
  {
    hide CanonicalPayload, CleanEvent;
    assert RowOk(hash, a, 0) && RowOk(hash, b, d);
    assert HashInput(a[0]) == CanonicalPayload(a[0].event);
    if d == 0 {
      assert HashInput(b[0]) == CanonicalPayload(b[0].event);
      PayloadInjective(a[0].event, b[0].event);
    }
  }

  /** Tamper evidence: two logs that both verify and end in the same hash carry the same events and hashes row by
      row, counted from the end, or exhibit a collision of the digest.  The one exception is the first row of a
      shorter log, whose event may have swallowed the hash of the row that is missing in front of it. */
  lemma SameTipSameHistory(hash: Digest, a: seq<Record>, b: seq<Record>)
    requires forall s :: |hash(s)| == 32
    requires ChainOk(hash, a) && ChainOk(hash, b) && 0 < |a| <= |b|
    requires CleanLog(a) && CleanLog(b)
    requires a[|a| - 1].rowHash == b[|b| - 1].rowHash
    ensures var d := |b| - |a|;
            || (exists i :: 0 <= i < |a| && CollisionAt(hash, a, b, d, i))
            || ((forall i :: 0 < i < |a| ==> SameLinks(a[i], b[d + i]))
                && a[0].rowHash == b[d].rowHash
                && if d == 0 then SameLinks(a[0], b[0]) else Grafted(b, d, a[0].event))
  {
    hide CleanEvent, CollisionAt, SameLinks, Grafted;
    var d := |b| - |a|;
    if forall i :: 0 <= i < |a| ==> !CollisionAt(hash, a, b, d, i) {
      RowsAgree(hash, a, b, d, |a| - 1);
      FirstRowAgrees(hash, a, b, d);
    }
  }

  /** Behind a hash without NUL, the swallowed bytes stand in front of the actor. */
  lemma GraftedIsLongerActor(b: seq<Record>, d: nat, first: Event)
    requires 0 < d < |b| && CleanEvent(first) && CleanEvent(b[d].event) && NulFree(b[d - 1].rowHash)
    ensures Grafted(b, d, first) <==> first == b[d].event.(actor := b[d - 1].rowHash + b[d].event.actor)
  {
    var h, e := b[d - 1].rowHash, b[d].event;
    var f := e.(actor := h + e.actor);
    LongerActor(e, h);
    assert CleanEvent(f) by { hide Clean, KeysNulFree; }
    hide CanonicalPayload, CleanEvent;
    if Grafted(b, d, first) {
      PayloadInjective(first, f);
    }
  }

  /** The log from row `d` on, its first event with the missing hash in front of the actor. */
  function Shortened(b: seq<Record>, d: nat): seq<Record>
    requires 0 < d < |b|
  {
    var e := b[d].event;
    [b[d].(event := e.(actor := b[d - 1].rowHash + e.actor), prevHash := None)] + b[d + 1..]
  }

  /** The exception is real: every log that verifies can lose its oldest rows this way and still verifies with the
      same last hash. */
  lemma ShortenedVerifies(hash: Digest, b: seq<Record>, d: nat)
    requires ChainOk(hash, b) && 0 < d < |b|
    ensures var a := Shortened(b, d);
            ChainOk(hash, a) && |a| == |b| - d && a[|a| - 1].rowHash == b[|b| - 1].rowHash && Grafted(b, d, a[0].event)
  {
    hide CanonicalPayload;
    var a := Shortened(b, d);
    LongerActor(b[d].event, b[d - 1].rowHash);
    assert RowOk(hash, b, d);
    assert HashInput(a[0]) == HashInput(b[d]);
    forall i | 0 <= i < |a| ensures RowOk(hash, a, i) {
      assert RowOk(hash, b, d + i);
      if i > 0 {
        assert a[i] == b[d + i];
        assert a[i - 1].rowHash == b[d + i - 1].rowHash;
      }
    }
  }

  /** `MemoryAuditSink`: the mutex makes every append one step. */
  class MemoryAuditSink {
    const hash: Digest
    var log: seq<Record>

    ghost predicate Valid()
      reads this
    {
      ChainOk(hash, log) && forall i :: 0 <= i < |log| ==> log[i].id == i + 1
    }

    constructor (hash: Digest)
      ensures Valid() && log == [] && this.hash == hash
    {
      this.hash := hash;
      log := [];
    }

    /** Appending keeps the whole chain verified, keeps every earlier row, and adds exactly the given event. */
    method Append(e: Event, at: int) returns (r: Record)
      requires Valid()
      modifies this`log
      ensures Valid()
      ensures log == old(log) + [r]
      ensures r.event == e && r.at == at && r.id == |old(log)| + 1
    {
      var prevHash := if |log| == 0 then None else Some(log[|log| - 1].rowHash);
      var draft := Record(|log| + 1, at, e, prevHash, "");
      r := draft.(rowHash := hash(HashInput(draft)));
      ghost var before := log;
      log := log + [r];
      forall i | 0 <= i < |log| ensures RowOk(hash, log, i) {
        if i < |before| {
          assert RowOk(hash, before, i);
        } else {
          assert HashInput(r) == HashInput(draft);
        }
      }
    }
  }
}
