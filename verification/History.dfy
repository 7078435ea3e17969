/** Histories of events, as the interleaved flows record them. */
module History {

  lemma InPrefix<T>(log: seq<T>, more: seq<T>, e: T)
    requires log <= more && e in log
    ensures e in more
  {
    var i :| 0 <= i < |log| && log[i] == e;
    assert more[i] == e;
  }

  lemma InLonger<T>(log: seq<T>, e: T)
    ensures forall x :: x in log + [e] <==> x in log || x == e
  {
  }

  lemma HappenedAt<T>(log: seq<T>, n: nat, e: T) returns (i: nat)
    requires n <= |log| && e in log[..n]
    ensures i < n && log[i] == e
  {
    i :| 0 <= i < n && log[..n][i] == e;
  }

  /** Every event of a history came after what it needs. */
  ghost predicate Justified<T>(due: (seq<T>, T) -> bool, log: seq<T>) {
    forall n :: 0 <= n < |log| ==> due(log[..n], log[n])
  }

  lemma AppendJustified<T>(due: (seq<T>, T) -> bool, log: seq<T>, e: T)
    requires Justified(due, log) && due(log, e)
    ensures Justified(due, log + [e])
  {
    forall n | 0 <= n < |log + [e]| ensures due((log + [e])[..n], (log + [e])[n]) {
      if n < |log| {
        assert (log + [e])[..n] == log[..n];
      } else {
        assert (log + [e])[..n] == log;
      }
    }
  }
}
