/**
 The hash-chained JSON-lines ledgers.  A hash is the term it was computed from, so two hashes
 are equal exactly when their inputs are, and `Zeros` (the genesis constant) is never one.
 */
module HashChain {

  datatype Digest<T> = Zeros | Sha(prev: Digest<T>, body: T)

  /** A stored record: its content, the hash it claims to follow and the hash it claims to have. */
  datatype Entry<T> = Entry(body: T, prev: Digest<T>, sha: Digest<T>)

  /** A line of the file: empty, not decodable (a torn write), or a decoded record. */
  datatype Line<T> = Blank | Garbled | Stored(entry: Entry<T>)

  function TailOf<T>(bodies: seq<T>): Digest<T> {
    if bodies == [] then Zeros else Sha(TailOf(bodies[..|bodies| - 1]), bodies[|bodies| - 1])
  }

  /** What a writer that appends `bodies` one by one leaves in the file. */
  function Stamp<T>(bodies: seq<T>): (lines: seq<Line<T>>)
    ensures |lines| == |bodies|
  {
    if bodies == [] then []
    else
      var before := bodies[..|bodies| - 1];
      Stamp(before) + [Stored(Entry(bodies[|bodies| - 1], TailOf(before), TailOf(bodies)))]
  }

  predicate Follows<T(==)>(line: Line<T>, tail: Digest<T>) {
    line.Stored? && line.entry.prev == tail && line.entry.sha == Sha(line.entry.prev, line.entry.body)
  }

  /** One tail hash determines the whole ledger: compare-and-append on the tail is
      compare-and-append on the records. */
  lemma {:induction false} SameTailSameRecords<T>(a: seq<T>, b: seq<T>)
    requires TailOf(a) == TailOf(b)
    ensures a == b
  {
    if a != [] && b != [] {
      SameTailSameRecords(a[..|a| - 1], b[..|b| - 1]);
      assert a == a[..|a| - 1] + [a[|a| - 1]];
      assert b == b[..|b| - 1] + [b[|b| - 1]];
    }
  }

  lemma {:induction false} StampAppends<T>(bodies: seq<T>, body: T)
    ensures Stamp(bodies + [body]) == Stamp(bodies) + [Stored(Entry(body, TailOf(bodies), Sha(TailOf(bodies), body)))]
    ensures TailOf(bodies + [body]) == Sha(TailOf(bodies), body)
  {
    assert (bodies + [body])[..|bodies|] == bodies;
  }

  /** Line `i` of a stamped file follows the tail of the records before it. */
  lemma {:induction false} StampAt<T>(bodies: seq<T>, i: nat)
    requires i < |bodies|
    ensures Stamp(bodies)[i] == Stored(Entry(bodies[i], TailOf(bodies[..i]), Sha(TailOf(bodies[..i]), bodies[i])))
  {
    var before := bodies[..|bodies| - 1];
    if i < |before| {
      StampAt(before, i);
      assert before[..i] == bodies[..i];
    }
  }

  /** A file is a stamp exactly when every line follows the records before it. */
  lemma {:induction false} StampIffFollows<T>(lines: seq<Line<T>>, bodies: seq<T>)
    requires |lines| == |bodies|
    ensures lines == Stamp(bodies) <==>
      forall i :: 0 <= i < |lines| ==> Follows(lines[i], TailOf(bodies[..i])) && lines[i].entry.body == bodies[i]
  {
    forall i | 0 <= i < |bodies|
      ensures Stamp(bodies)[i] == Stored(Entry(bodies[i], TailOf(bodies[..i]), Sha(TailOf(bodies[..i]), bodies[i])))
    {
      StampAt(bodies, i);
    }
  }
}
