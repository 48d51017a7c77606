/**
 * `differences(before, after)` of has_paper_trail.rb: the attribute-level
 * changes between two attribute hashes, sorted by attribute name, and the
 * `reject!` filter that drops ignored attributes before diffing.
 */
module DiffEngine {
  import opened Attributes

  /** One reported change: an attribute with its value before and after. */
  datatype Diff = Diff(attribute: string, before: Value, after: Value)

  /**
   * ActiveSupport's Hash#diff of `before` against `after`: the pairs of
   * `before` whose value differs from the value `after` gives for the key
   * (nil when missing), merged with the pairs of `after` whose key `before`
   * lacks.
   */
  function HashDiff(before: Attrs, after: Attrs): (d: Attrs)
  {
    (map k | k in before && before[k] != Get(after, k) :: before[k])
    + (map k | k in after && k !in before :: after[k])
  }

  /** The attribute names of a list of reported changes, in list order. */
  function Names(r: seq<Diff>): (ns: seq<string>)
    ensures |ns| == |r|
    ensures forall i :: 0 <= i < |r| ==> ns[i] == r[i].attribute
  {
    seq(|r|, i requires 0 <= i < |r| => r[i].attribute)
  }

  /**
   * Which keys are reported. A key in both hashes is reported exactly when
   * its two values differ; a key only in `after` always is, even when its
   * value is nil; a key only in `before` is reported unless its value is nil
   * (nil equals the missing `after[k]`); a key in neither never is.
   */
  function Differences(before: Attrs, after: Attrs): (r: seq<Diff>)
    ensures StrictlyAscending(Names(r))
    ensures forall i :: 0 <= i < |r| ==>
      r[i] == Diff(r[i].attribute, Get(before, r[i].attribute), Get(after, r[i].attribute))
    ensures forall k :: k in before && k in after ==> (k in Names(r) <==> before[k] != after[k])
    ensures forall k :: k !in before && k in after ==> k in Names(r)
    ensures forall k :: k in before && k !in after ==> (k in Names(r) <==> before[k] != Nil)
    ensures forall k :: k !in before && k !in after ==> k !in Names(r)
  {
    var keys := SortedKeys(HashDiff(before, after).Keys);
    var r := seq(|keys|, i requires 0 <= i < |keys| => Diff(keys[i], Get(before, keys[i]), Get(after, keys[i])));
    assert Names(r) == keys;
    HashDiffKeys(before, after);
    r
  }

  /** The keys of `before.diff(after)`, case by case. */
  lemma HashDiffKeys(before: Attrs, after: Attrs)
    ensures forall k :: k in before && k in after ==> (k in HashDiff(before, after) <==> before[k] != after[k])
    ensures forall k :: k !in before && k in after ==> k in HashDiff(before, after)
    ensures forall k :: k in before && k !in after ==> (k in HashDiff(before, after) <==> before[k] != Nil)
    ensures forall k :: k !in before && k !in after ==> k !in HashDiff(before, after)
  {
  }

  /** The `reject!` filter of `audit_trail`: the hash without the ignored attributes. */
  function Reject(h: Attrs, ignored: seq<string>): (r: Attrs)
  {
    map k | k in h && k !in ignored :: h[k]
  }

  /** Identical hashes have no differences. */
  lemma DifferencesOfSame(a: Attrs)
    ensures Differences(a, a) == []
  {
  }

  /** An ignored attribute never shows up once both hashes went through `Reject`. */
  lemma IgnoredNeverReported(before: Attrs, after: Attrs, ignored: seq<string>, k: string)
    requires k in ignored
    ensures k !in Names(Differences(Reject(before, ignored), Reject(after, ignored)))
  {
  }

  /** Rejecting ignored attributes changes nothing about the attributes that are kept. */
  lemma RejectKeepsOthers(before: Attrs, after: Attrs, ignored: seq<string>, k: string)
    requires k !in ignored
    ensures k in Names(Differences(Reject(before, ignored), Reject(after, ignored)))
        <==> k in Names(Differences(before, after))
  {
  }
}
