/**
 Append-only journals of fired and resolved transitions, one history per key. A key's last entry is its state.
 */
module Journal {
  import opened Options

  datatype Change = Fired | Resolved

  datatype Entry<K> = Entry(key: K, change: Change, value: real, at: int)

  /** What a guardrail entry is about: the budget or a resource, the rule, and the threshold when the rule has one. */
  datatype GuardrailKey = GuardrailKey(subject: string, rule: string, detail: Option<int>)

  /** The key's own entries, in order. */
  function ChangesOf<K(==)>(log: seq<Entry<K>>, k: K): seq<Change> {
    if log == [] then []
    else
      var n := |log| - 1;
      ChangesOf(log[..n], k) + if log[n].key == k then [log[n].change] else []
  }

  /** Fired first, then each the opposite of the one before. */
  predicate Alternating(changes: seq<Change>) {
    forall i :: 0 <= i < |changes| ==> changes[i] == if i % 2 == 0 then Fired else Resolved
  }

  ghost predicate AllAlternate<K(!new)>(log: seq<Entry<K>>) {
    forall k :: Alternating(ChangesOf(log, k))
  }

  /** Whether the key's last entry says it is firing. */
  predicate FiringIn<K(==)>(log: seq<Entry<K>>, k: K) {
    var changes := ChangesOf(log, k);
    changes != [] && changes[|changes| - 1] == Fired
  }

  lemma {:induction false} HasEntry<K>(log: seq<Entry<K>>, k: K) returns (i: nat)
    requires ChangesOf(log, k) != []
    ensures i < |log| && log[i].key == k
  {
    var n := |log| - 1;
    if log[n].key == k {
      i := n;
    } else {
      i := HasEntry(log[..n], k);
    }
  }

  lemma FiringIsLogged<K(!new)>(log: seq<Entry<K>>)
    ensures forall k :: FiringIn(log, k) ==> exists i :: 0 <= i < |log| && log[i].key == k
  {
    forall k | FiringIn(log, k)
      ensures exists i :: 0 <= i < |log| && log[i].key == k
    {
      var i := HasEntry(log, k);
    }
  }

  /** Every key whose last entry is fired. */
  function FiringKeys<K(==, !new)>(log: seq<Entry<K>>): (keys: set<K>)
    ensures forall k :: k in keys <==> FiringIn(log, k)
  {
    FiringIsLogged(log);
    set i | 0 <= i < |log| && FiringIn(log, log[i].key) :: log[i].key
  }

  lemma ChangesSnoc<K>(log: seq<Entry<K>>, e: Entry<K>, k: K)
    ensures ChangesOf(log + [e], k) == ChangesOf(log, k) + if e.key == k then [e.change] else []
  {
    assert (log + [e])[..|log|] == log;
  }

  lemma {:induction false} ChangesConcat<K>(a: seq<Entry<K>>, b: seq<Entry<K>>, k: K)
    ensures ChangesOf(a + b, k) == ChangesOf(a, k) + ChangesOf(b, k)
  {
    if b == [] {
      assert a + b == a;
    } else {
      var n := |b| - 1;
      assert a + b == a + b[..n] + [b[n]];
      ChangesConcat(a, b[..n], k);
      ChangesSnoc(a + b[..n], b[n], k);
    }
  }

  /** A batch that turns each of its keys over once keeps alternation. */
  lemma AlternatesOn<K>(log: seq<Entry<K>>, batch: seq<Entry<K>>, k: K)
    requires Alternating(ChangesOf(log, k))
    requires ChangesOf(batch, k) == [] || ChangesOf(batch, k) == [if FiringIn(log, k) then Resolved else Fired]
    ensures Alternating(ChangesOf(log + batch, k))
    ensures FiringIn(log + batch, k) == if ChangesOf(batch, k) == [] then FiringIn(log, k) else !FiringIn(log, k)
  {
    ChangesConcat(log, batch, k);
  }

  lemma PrefixAlternates<K>(log: seq<Entry<K>>, rest: seq<Entry<K>>, k: K)
    requires Alternating(ChangesOf(log + rest, k))
    ensures Alternating(ChangesOf(log, k))
  {
    ChangesConcat(log, rest, k);
    var all := ChangesOf(log + rest, k);
    assert forall i :: 0 <= i < |ChangesOf(log, k)| ==> ChangesOf(log, k)[i] == all[i];
  }
}
