/**
 The G4 one-shot authority: the two ids of a sealed run, the records of its ledger, and the
 authority check over a view of that ledger.
 */
module SealAuthority {

  /** The full identity tuple of a sealed run. */
  datatype Sealed = Sealed(codeSha: string, protocolHash: string, lane1: string, lane2: string,
                           calendar: string, runnerVersion: string, criteria: string, packet: string)

  /** The two ids, kept apart by their hash domains. */
  datatype Id = RunId(of: Sealed) | ContentId(of: Sealed)

  function SealedRunId(s: Sealed): Id {
    RunId(s)
  }

  function ContentIdentity(s: Sealed): Id {
    ContentId(s.(codeSha := "", packet := ""))
  }

  /** The same sealed content: everything but the checkout, and the packet that includes it. */
  predicate SameContent(a: Sealed, b: Sealed) {
    && a.protocolHash == b.protocolHash && a.lane1 == b.lane1 && a.lane2 == b.lane2
    && a.calendar == b.calendar && a.runnerVersion == b.runnerVersion && a.criteria == b.criteria
  }

  /** Two checkouts of one content share its identity, and no two contents do; a run id tells every
      field apart; no id of one kind is ever an id of the other. */
  lemma {:induction false} IdsTellApart(a: Sealed, b: Sealed)
    ensures ContentIdentity(a) == ContentIdentity(b) <==> SameContent(a, b)
    ensures SealedRunId(a) == SealedRunId(b) <==> a == b
    ensures SealedRunId(a) != ContentIdentity(b)
  {}

  datatype Kind = Approval | Consumption | Reconciliation | Note

  datatype LedgerRecord = LedgerRecord(kind: Kind, identity: Sealed, runId: Id, contentId: Id)

  /** A record as every writer of this module builds it. */
  function Honest(kind: Kind, s: Sealed): LedgerRecord {
    LedgerRecord(kind, s, SealedRunId(s), ContentIdentity(s))
  }

  predicate IdsMatch(r: LedgerRecord) {
    r.runId == SealedRunId(r.identity) && r.contentId == ContentIdentity(r.identity)
  }

  /** Records of one kind for the sealed content of `s`. */
  function Count(records: seq<LedgerRecord>, kind: Kind, s: Sealed): nat {
    if records == [] then 0
    else
      var r := records[|records| - 1];
      Count(records[..|records| - 1], kind, s) + if r.kind == kind && SameContent(r.identity, s) then 1 else 0
  }

  lemma {:induction false} CountAppend(records: seq<LedgerRecord>, r: LedgerRecord, kind: Kind, s: Sealed)
    ensures Count(records + [r], kind, s) ==
            Count(records, kind, s) + if r.kind == kind && SameContent(r.identity, s) then 1 else 0
  {
    assert (records + [r])[..|records|] == records;
  }

  lemma {:induction false} CountSame(records: seq<LedgerRecord>, kind: Kind, a: Sealed, b: Sealed)
    requires SameContent(a, b)
    ensures Count(records, kind, a) == Count(records, kind, b)
  {
    if records != [] {
      CountSame(records[..|records| - 1], kind, a, b);
    }
  }

  /* ---- the authority check ---- */

  datatype Ruling = Accepted | Corrupt | AlreadyConsumed | NoApproval

  predicate Spends(r: LedgerRecord) {
    r.kind.Consumption? || r.kind.Reconciliation?
  }

  /** No spend of this run, honest ids, and no reconciliation credited ahead of its consumption. */
  ghost predicate Sound(records: seq<LedgerRecord>, s: Sealed) {
    && (forall r :: r in records && Spends(r) ==> IdsMatch(r))
    && (forall r :: r in records && r.kind.Consumption? ==> r.identity != s)
    && InCausalOrder(records, s)
  }

  ghost predicate InCausalOrder(records: seq<LedgerRecord>, s: Sealed) {
    forall k :: 0 <= k <= |records| ==>
      Count(records[..k], Reconciliation, s) <= Count(records[..k], Consumption, s)
  }

  ghost predicate Approves(r: LedgerRecord, s: Sealed) {
    r.kind.Approval? && IdsMatch(r) && r.identity == s
  }

  /** When the authority check lets a run through. */
  ghost predicate Authorised(records: seq<LedgerRecord>, s: Sealed) {
    && Sound(records, s)
    && Count(records, Consumption, s) == Count(records, Reconciliation, s)
    && exists r :: r in records && Approves(r, s)
  }

  /** Record `k` is the first one the check cannot read as honest authority. */
  ghost predicate CorruptAt(records: seq<LedgerRecord>, s: Sealed, k: nat) {
    && k < |records| && Sound(records[..k], s) && Spends(records[k])
    && (!IdsMatch(records[k])
        || (records[k].kind.Reconciliation? && SameContent(records[k].identity, s)
            && Count(records[..k], Reconciliation, s) == Count(records[..k], Consumption, s)))
  }

  /** Record `k` is the first consumption of exactly this run. */
  ghost predicate ConsumedAt(records: seq<LedgerRecord>, s: Sealed, k: nat) {
    k < |records| && Sound(records[..k], s) && records[k].kind.Consumption? && IdsMatch(records[k])
      && records[k].identity == s
  }

  lemma {:induction false} SoundAppend(records: seq<LedgerRecord>, r: LedgerRecord, s: Sealed)
    requires Sound(records, s)
    ensures Sound(records + [r], s) <==>
      && (Spends(r) ==> IdsMatch(r))
      && (r.kind.Consumption? ==> r.identity != s)
      && Count(records + [r], Reconciliation, s) <= Count(records + [r], Consumption, s)
  {
    var all := records + [r];
    assert all[..|all|] == all;
    forall k | 0 <= k <= |records| ensures all[..k] == records[..k] {}
    assert r in all;
    if forall x :: x in all && Spends(x) ==> IdsMatch(x) {}
  }

  lemma SoundPrefix(records: seq<LedgerRecord>, k: nat, s: Sealed)
    requires k <= |records|
    ensures Sound(records, s) ==> Sound(records[..k], s)
  {
    forall j | 0 <= j <= k ensures records[..k][..j] == records[..j] {}
    forall r | r in records[..k] ensures r in records {}
  }

  /** The comparisons the check makes on an approval record. */
  predicate IsApproval(r: LedgerRecord, s: Sealed) {
    && r.kind.Approval? && r.runId == SealedRunId(s) && r.contentId == ContentIdentity(s)
    && SealedRunId(r.identity) == SealedRunId(s) && ContentIdentity(r.identity) == ContentIdentity(s)
    && r.identity.packet == s.packet
  }

  lemma {:induction false} ApprovalIs(records: seq<LedgerRecord>, s: Sealed)
    ensures (exists r :: r in records && IsApproval(r, s)) <==> exists r :: r in records && Approves(r, s)
  {
    forall r ensures IsApproval(r, s) <==> Approves(r, s) {}
  }

  /** One more record of a sound prefix: it counts, or it is the first fault. */
  lemma {:induction false} ReadNext(records: seq<LedgerRecord>, i: nat, s: Sealed)
    requires i < |records| && Sound(records[..i], s)
    ensures var r := records[i];
      var spent, credited := Count(records[..i], Consumption, s), Count(records[..i], Reconciliation, s);
      var same := ContentIdentity(r.identity) == ContentIdentity(s);
      && credited <= spent
      && Count(records[..i + 1], Consumption, s) == spent + (if r.kind.Consumption? && same then 1 else 0)
      && Count(records[..i + 1], Reconciliation, s) == credited + (if r.kind.Reconciliation? && same then 1 else 0)
      && (Spends(r) && !IdsMatch(r) ==> CorruptAt(records, s, i))
      && (r.kind.Reconciliation? && same && credited == spent ==> CorruptAt(records, s, i))
      && (r.kind.Consumption? && IdsMatch(r) && SealedRunId(r.identity) == SealedRunId(s) ==> ConsumedAt(records, s, i))
      && (!CorruptAt(records, s, i) && !ConsumedAt(records, s, i) ==> Sound(records[..i + 1], s))
  {
    assert records[..i + 1] == records[..i] + [records[i]];
    assert records[..i][..i] == records[..i];
    SoundAppend(records[..i], records[i], s);
    IdsTellApart(records[i].identity, s);
    CountAppend(records[..i], records[i], Consumption, s);
    CountAppend(records[..i], records[i], Reconciliation, s);
  }

  /** `_check_authority`: one pass with two counters, then the budget, then the approval. */
  method CheckAuthority(records: seq<LedgerRecord>, s: Sealed) returns (ruling: Ruling)
    ensures ruling.Accepted? <==> Authorised(records, s)
    ensures ruling.Corrupt? <==> exists k :: CorruptAt(records, s, k)
    ensures ruling.AlreadyConsumed? <==>
      || (exists k :: ConsumedAt(records, s, k))
      || (Sound(records, s)
          && Count(records, Consumption, s) > Count(records, Reconciliation, s))
  {
    var runId, content := SealedRunId(s), ContentIdentity(s);
    var consumptions, reconciliations := 0, 0;
    for i := 0 to |records|
      invariant Sound(records[..i], s)
      invariant reconciliations <= consumptions == Count(records[..i], Consumption, s)
      invariant reconciliations == Count(records[..i], Reconciliation, s)
    {
      var r := records[i];
      ReadNext(records, i, s);
      if r.kind.Reconciliation? {
        if r.contentId != ContentIdentity(r.identity) || r.runId != SealedRunId(r.identity) {
          FirstFault(records, s, i);
          return Corrupt;
        }
        if ContentIdentity(r.identity) == content {
          reconciliations := reconciliations + 1;
          if reconciliations > consumptions {
            FirstFault(records, s, i);
            return Corrupt;
          }
        }
      } else if r.kind.Consumption? {
        if r.runId != SealedRunId(r.identity) || r.contentId != ContentIdentity(r.identity) {
          FirstFault(records, s, i);
          return Corrupt;
        }
        if SealedRunId(r.identity) == runId {
          FirstFault(records, s, i);
          return AlreadyConsumed;
        }
        if ContentIdentity(r.identity) == content {
          consumptions := consumptions + 1;
        }
      }
    }
    assert records[..|records|] == records;
    NoFault(records, s);
    assert Count(records, Reconciliation, s) <= Count(records, Consumption, s);
    if consumptions > reconciliations {
      return AlreadyConsumed;
    }
    ApprovalIs(records, s);
    ruling := if exists r :: r in records && IsApproval(r, s) then Accepted else NoApproval;
  }

  /** The first fault is the only one, and it makes the whole ledger unsound. */
  lemma FirstFault(records: seq<LedgerRecord>, s: Sealed, k: nat)
    requires CorruptAt(records, s, k) || ConsumedAt(records, s, k)
    ensures !Sound(records, s)
    ensures CorruptAt(records, s, k) ==> forall j :: !ConsumedAt(records, s, j)
    ensures ConsumedAt(records, s, k) ==> forall j :: !CorruptAt(records, s, j)
  {
    FaultEndsSoundness(records, s, k, |records|);
    assert records[..|records|] == records;
    forall j: nat | CorruptAt(records, s, j) || ConsumedAt(records, s, j) ensures j == k {
      if k < j {
        FaultEndsSoundness(records, s, k, j);
      } else if j < k {
        FaultEndsSoundness(records, s, j, k);
      }
    }
  }

  lemma FaultEndsSoundness(records: seq<LedgerRecord>, s: Sealed, k: nat, j: nat)
    requires CorruptAt(records, s, k) || ConsumedAt(records, s, k)
    requires k < j <= |records|
    ensures !Sound(records[..j], s)
  {
    var upTo, r := records[..k], records[k];
    assert records[..j][..k + 1] == upTo + [r];
    CountAppend(upTo, r, Consumption, s);
    CountAppend(upTo, r, Reconciliation, s);
    SoundPrefix(records[..j], k + 1, s);
    SoundPrefix(records[..j], k, s);
    assert records[..j][..k] == upTo;
    if Sound(upTo, s) {
      SoundAppend(upTo, r, s);
    }
  }

  lemma NoFault(records: seq<LedgerRecord>, s: Sealed)
    requires Sound(records, s)
    ensures forall k :: !CorruptAt(records, s, k) && !ConsumedAt(records, s, k)
  {
    assert records[..|records|] == records;
    forall k: nat | CorruptAt(records, s, k) || ConsumedAt(records, s, k) ensures false {
      FaultEndsSoundness(records, s, k, |records|);
    }
  }
}
